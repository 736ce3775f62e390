/**
 * The lecture page: the access decision, the gate that redirects or
 * renders, the play-auth request, and the one-shot completion guard that
 * marks the lecture as watched when playback reaches 90%.
 */
module LectureDetails {
  import opened Wrappers
  import opened JsValues
  import opened Types
  import opened Routes
  import opened StrapiConfig
  import opened AxiosErrors

  /** `hasAccess`: the `find` over the enrolled courses by course slug. */
  function HasAccess(courses: seq<CourseStudent>, courseSlug: string): (r: bool)
    ensures r <==> exists i :: 0 <= i < |courses| && courses[i].course.slug == courseSlug
  {
    if courses == [] then false
    else if courses[0].course.slug == courseSlug then true
    else
      var rest := HasAccess(courses[1..], courseSlug);
      assert forall i :: 1 <= i < |courses| ==> courses[i] == courses[1..][i - 1];
      if rest then
        var j :| 0 <= j < |courses[1..]| && courses[1..][j].course.slug == courseSlug;
        assert courses[j + 1] == courses[1..][j];
        true
      else false
  }

  /** Access depends only on which course slugs are enrolled, not on order or progress. */
  lemma HasAccessOnlySlugs(a: seq<CourseStudent>, b: seq<CourseStudent>, courseSlug: string)
    requires forall x :: x in a ==> exists y :: y in b && y.course.slug == x.course.slug
    ensures HasAccess(a, courseSlug) ==> HasAccess(b, courseSlug)
  {
    if HasAccess(a, courseSlug) {
      var i :| 0 <= i < |a| && a[i].course.slug == courseSlug;
      assert a[i] in a;
      var y :| y in b && y.course.slug == a[i].course.slug;
      var j :| 0 <= j < |b| && b[j] == y;
    }
  }

  /** One `timeupdate` reading of the player. */
  datatype Tick = Tick(currentTime: real, duration: real)

  /** `duration && currentTime / duration >= 0.9` */
  predicate Qualifies(t: Tick) {
    t.duration != 0.0 && t.currentTime / t.duration >= 0.9
  }

  /** Whether a time update fires check-lecture, given the guard and the player (None: no player yet). */
  function Fires(hasFired: bool, player: Option<Tick>): (r: bool)
    ensures r <==> !hasFired && player.Some? && Qualifies(player.value)
  {
    match player
    case None => false
    case Some(t) => !hasFired && Qualifies(t)
  }

  /** Which of a run of time updates fire, the guard being set by each firing. */
  function Run(hasFired: bool, updates: seq<Option<Tick>>): (r: seq<bool>)
    ensures |r| == |updates|
    decreases |updates|
  {
    if updates == [] then []
    else
      var fired := Fires(hasFired, updates[0]);
      [fired] + Run(hasFired || fired, updates[1..])
  }

  predicate QualifiesAt(updates: seq<Option<Tick>>, i: int)
    requires 0 <= i < |updates|
  {
    updates[i].Some? && Qualifies(updates[i].value)
  }

  /**
   * Starting from a reset guard, an update fires exactly when it is the
   * first qualifying one of the run; a set guard fires nothing.
   */
  lemma {:induction false} RunFiresAtFirstQualifying(hasFired: bool, updates: seq<Option<Tick>>, i: nat)
    requires i < |updates|
    ensures Run(hasFired, updates)[i] <==>
      !hasFired && QualifiesAt(updates, i) && forall k :: 0 <= k < i ==> !QualifiesAt(updates, k)
    decreases i
  {
    var fired := Fires(hasFired, updates[0]);
    if i > 0 {
      var rest := updates[1..];
      RunFiresAtFirstQualifying(hasFired || fired, rest, i - 1);
      assert Run(hasFired, updates)[i] == Run(hasFired || fired, rest)[i - 1];
      assert QualifiesAt(rest, i - 1) == QualifiesAt(updates, i);
      assert forall k :: 0 <= k < i - 1 ==> QualifiesAt(rest, k) == QualifiesAt(updates, k + 1);
      if !hasFired && !fired {
        assert !QualifiesAt(updates, 0);
        assert (forall k :: 0 <= k < i - 1 ==> !QualifiesAt(rest, k))
          <==> (forall k :: 0 <= k < i ==> !QualifiesAt(updates, k)) by {
          if forall k :: 0 <= k < i - 1 ==> !QualifiesAt(rest, k) {
            forall k | 0 < k < i ensures !QualifiesAt(updates, k) {
              assert QualifiesAt(rest, k - 1) == QualifiesAt(updates, k);
            }
          }
        }
      } else if !hasFired {
        assert QualifiesAt(updates, 0);
      }
    }
  }

  /** A run of updates without a reset triggers check-lecture at most once. */
  lemma RunFiresAtMostOnce(hasFired: bool, updates: seq<Option<Tick>>, i: nat, j: nat)
    requires i < |updates| && j < |updates|
    requires Run(hasFired, updates)[i] && Run(hasFired, updates)[j]
    ensures i == j
  {
    RunFiresAtFirstQualifying(hasFired, updates, i);
    RunFiresAtFirstQualifying(hasFired, updates, j);
  }

  /** A run in which some update reaches 90% of a known duration fires once. */
  lemma RunFiresWhenQualifying(updates: seq<Option<Tick>>, i: nat)
    requires i < |updates| && QualifiesAt(updates, i)
    ensures exists k :: 0 <= k <= i && Run(false, updates)[k]
  {
    if forall k :: 0 <= k < i ==> !QualifiesAt(updates, k) {
      RunFiresAtFirstQualifying(false, updates, i);
    } else {
      var k :| 0 <= k < i && QualifiesAt(updates, k);
      RunFiresWhenQualifying(updates, k);
    }
  }

  /** A 100-second video watched at 10, 50, 89, 90, 95 and 99 seconds fires at 90 only. */
  lemma RunExample()
    ensures var d := 100.0;
      Run(false, [Some(Tick(10.0, d)), Some(Tick(50.0, d)), Some(Tick(89.0, d)),
                  Some(Tick(90.0, d)), Some(Tick(95.0, d)), Some(Tick(99.0, d))])
      == [false, false, false, true, false, false]
  {
    var d := 100.0;
    assert !Qualifies(Tick(10.0, d)) && !Qualifies(Tick(50.0, d)) && !Qualifies(Tick(89.0, d));
    assert Qualifies(Tick(90.0, d));
    var u := [Some(Tick(10.0, d)), Some(Tick(50.0, d)), Some(Tick(89.0, d)),
              Some(Tick(90.0, d)), Some(Tick(95.0, d)), Some(Tick(99.0, d))];
    assert Run(true, u[4..]) == [false, false];
    assert Run(false, u[3..]) == [true, false, false];
    assert Run(false, u[1..]) == [false, false, true, false, false];
  }

  /** A prev/next link: present only for a neighbour, to that lecture's page. */
  function NeighbourLink(courseSlug: string, neighbour: Option<Lecture>): (r: Option<string>)
    ensures r.Some? <==> neighbour.Some?
    ensures neighbour.Some? ==> r.value == LecturePath(courseSlug, neighbour.value.slug)
  {
    match neighbour
    case None => None
    case Some(l) => Some(LecturePath(courseSlug, l.slug))
  }

  /** Prev and next lead to different pages whenever their slugs differ. */
  lemma NeighbourLinksDistinct(courseSlug: string, prev: Lecture, next: Lecture)
    requires prev.slug != next.slug
    ensures NeighbourLink(courseSlug, Some(prev)) != NeighbourLink(courseSlug, Some(next))
  {
    var p, q := LecturePath(courseSlug, prev.slug), LecturePath(courseSlug, next.slug);
    var n := |"/courses/" + courseSlug + "/"|;
    assert p[n..] == prev.slug;
    assert q[n..] == next.slug;
  }

  /** The play-auth answer: the two fields (None when absent or falsy), or a thrown error. */
  datatype PlayAuthOutcome =
    | PlayAuthReceived(playAuth: Option<string>, videoId: Option<string>)
    | PlayAuthFailed(error: Thrown)

  /** The check-lecture answer. */
  datatype CheckOutcome = CheckSucceeded | CheckFailed(error: Thrown)

  const PLAY_AUTH_FALLBACK := "An error occurred"
  const CHECK_LECTURE_FALLBACK := "An error checkLecture"

  /** The component's state. */
  class LecturePage {
    var render: bool
    var playAuth: string
    var videoId: string
    var hasFired: bool
    var serverState: string
    /** How many times the sidebar was asked to refresh its progress. */
    var sidebarRefreshes: nat

    constructor(strapiSet: bool)
      ensures !render && playAuth == "" && videoId == "" && !hasFired
      ensures serverState == InitialServerState(strapiSet) && sidebarRefreshes == 0
    {
      render := false;
      playAuth := "";
      videoId := "";
      hasFired := false;
      serverState := InitialServerState(strapiSet);
      sidebarRefreshes := 0;
    }

    /**
     * The access effect: while not yet rendering, no access and no login
     * goes to the login page, no access with a login goes to the course
     * page, and access lets the page render; once rendering, nothing more.
     */
    method CheckAccess(hasAccess: bool, isLoggedIn: bool, coursePath: string) returns (navigate: Option<string>)
      modifies this
      ensures old(render) ==> navigate == None && render
      ensures !old(render) && !hasAccess && !isLoggedIn ==> navigate == Some(LOGIN_REGISTER) && !render
      ensures !old(render) && !hasAccess && isLoggedIn ==> navigate == Some(coursePath) && !render
      ensures !old(render) && hasAccess ==> navigate == None && render
      ensures playAuth == old(playAuth) && videoId == old(videoId) && hasFired == old(hasFired)
      ensures serverState == old(serverState) && sidebarRefreshes == old(sidebarRefreshes)
    {
      navigate := None;
      if !render {
        if !hasAccess && !isLoggedIn {
          return Some(LOGIN_REGISTER);
        } else if !hasAccess {
          return Some(coursePath);
        }
        render := true;
      }
    }

    /**
     * The play-auth effect, run whenever the lecture, the access, the course
     * or the token changes: the completion guard is reset; with access and a
     * server the answer's fields (or "") are stored, or the error's message.
     */
    method LoadPlayAuth(hasAccess: bool, strapiSet: bool, outcome: PlayAuthOutcome) returns (requested: bool)
      modifies this
      ensures !hasFired
      ensures requested == (hasAccess && strapiSet)
      ensures !requested ==> playAuth == old(playAuth) && videoId == old(videoId) && serverState == old(serverState)
      ensures requested && outcome.PlayAuthReceived? ==>
        playAuth == outcome.playAuth.GetOr("") && videoId == outcome.videoId.GetOr("") && serverState == ""
      ensures requested && outcome.PlayAuthFailed? ==>
        playAuth == old(playAuth) && videoId == old(videoId) && serverState == ErrorMessageOr(outcome.error, PLAY_AUTH_FALLBACK)
      ensures render == old(render) && sidebarRefreshes == old(sidebarRefreshes)
    {
      hasFired := false;
      requested := false;
      if hasAccess {
        if !strapiSet || !hasAccess {
          return;
        }
        requested := true;
        serverState := "";
        match outcome {
          case PlayAuthReceived(pa, vid) =>
            playAuth := pa.GetOr("");
            videoId := vid.GetOr("");
          case PlayAuthFailed(e) =>
            var errorMsg := PLAY_AUTH_FALLBACK;
            var strapiErrorMsg := GetStrapiError(e);
            if strapiErrorMsg != "" {
              errorMsg := strapiErrorMsg;
            }
            serverState := errorMsg;
        }
      }
    }

    /**
     * `checkLecture`: nothing without a server; success refreshes the
     * sidebar; failure shows the error's message or "An error checkLecture".
     */
    method CheckLecture(strapiSet: bool, outcome: CheckOutcome) returns (requested: bool)
      modifies this
      ensures requested == strapiSet
      ensures requested && outcome.CheckSucceeded? ==>
        sidebarRefreshes == old(sidebarRefreshes) + 1 && serverState == old(serverState)
      ensures requested && outcome.CheckFailed? ==>
        sidebarRefreshes == old(sidebarRefreshes) && serverState == ErrorMessageOr(outcome.error, CHECK_LECTURE_FALLBACK)
      ensures !requested ==> sidebarRefreshes == old(sidebarRefreshes) && serverState == old(serverState)
      ensures render == old(render) && playAuth == old(playAuth) && videoId == old(videoId) && hasFired == old(hasFired)
    {
      if !strapiSet {
        return false;
      }
      requested := true;
      match outcome {
        case CheckSucceeded =>
          sidebarRefreshes := sidebarRefreshes + 1;
        case CheckFailed(e) =>
          var errorMsg := CHECK_LECTURE_FALLBACK;
          var strapiErrorMsg := GetStrapiError(e);
          if strapiErrorMsg != "" {
            errorMsg := strapiErrorMsg;
          }
          serverState := errorMsg;
      }
    }

    /**
     * `handleTimeUpdate`: fires check-lecture when the guard is unset and
     * playback has reached 90% of a known duration, setting the guard.
     */
    method HandleTimeUpdate(player: Option<Tick>, strapiSet: bool, outcome: CheckOutcome) returns (fired: bool)
      modifies this
      ensures fired == Fires(old(hasFired), player)
      ensures hasFired == (old(hasFired) || fired)
      ensures !fired ==> serverState == old(serverState) && sidebarRefreshes == old(sidebarRefreshes)
      ensures fired && strapiSet && outcome.CheckSucceeded? ==>
        sidebarRefreshes == old(sidebarRefreshes) + 1 && serverState == old(serverState)
      ensures fired && strapiSet && outcome.CheckFailed? ==>
        sidebarRefreshes == old(sidebarRefreshes) && serverState == ErrorMessageOr(outcome.error, CHECK_LECTURE_FALLBACK)
      ensures fired && !strapiSet ==> serverState == old(serverState) && sidebarRefreshes == old(sidebarRefreshes)
      ensures render == old(render) && playAuth == old(playAuth) && videoId == old(videoId)
    {
      fired := false;
      if player.Some? {
        var t := player.value;
        if !hasFired && t.duration != 0.0 && t.currentTime / t.duration >= 0.9 {
          hasFired := true;
          fired := true;
          var _ := CheckLecture(strapiSet, outcome);
        }
      }
    }
  }
}
