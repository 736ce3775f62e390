/**
 * The course sidebar: progress over the course and per module, the lecture
 * duration label, the active lecture, and the completed-lectures fetch.
 */
module CourseSidebar {
  import opened Wrappers
  import opened Text
  import opened Types
  import opened JsValues
  import opened Duration

  /**
   * `totalLectures`: the `reduce` adding up each module's lecture count; it
   * is 0 exactly when every module is empty.
   */
  function TotalLectures(modules: seq<Module>): (n: nat)
    ensures n == 0 <==> forall i :: 0 <= i < |modules| ==> modules[i].lectures == []
  {
    if modules == [] then 0
    else
      var init := modules[..|modules| - 1];
      assert forall i :: 0 <= i < |init| ==> init[i] == modules[i];
      TotalLectures(init) + |modules[|modules| - 1].lectures|
  }

  /**
   * The lectures of a module whose slug is in the completed set
   * (`filter(...).length`): a positive count needs a completed lecture.
   */
  function CompletedIn(lectures: seq<Lecture>, completed: set<string>): (n: nat)
    ensures n > 0 ==> exists i :: 0 <= i < |lectures| && lectures[i].slug in completed
  {
    if lectures == [] then 0
    else
      var init := lectures[..|lectures| - 1];
      assert forall i :: 0 <= i < |init| ==> init[i] == lectures[i];
      CompletedIn(init, completed) + (if lectures[|lectures| - 1].slug in completed then 1 else 0)
  }

  /** `completedCount`: the per-module counts added up; positive only if some module has a completed lecture. */
  function CompletedCount(modules: seq<Module>, completed: set<string>): (n: nat)
    ensures n > 0 ==> exists i :: 0 <= i < |modules| && CompletedIn(modules[i].lectures, completed) > 0
  {
    if modules == [] then 0
    else
      var init := modules[..|modules| - 1];
      assert forall i :: 0 <= i < |init| ==> init[i] == modules[i];
      CompletedCount(init, completed) + CompletedIn(modules[|modules| - 1].lectures, completed)
  }

  /** Every lecture of the course, module by module. */
  function AllLectures(modules: seq<Module>): seq<Lecture> {
    if modules == [] then []
    else AllLectures(modules[..|modules| - 1]) + modules[|modules| - 1].lectures
  }

  /** The slugs of the lectures that appear in the course. */
  function CourseSlugs(modules: seq<Module>): set<string> {
    set l | l in AllLectures(modules) :: l.slug
  }

  lemma {:induction false} CompletedInAppend(a: seq<Lecture>, b: seq<Lecture>, completed: set<string>)
    ensures CompletedIn(a + b, completed) == CompletedIn(a, completed) + CompletedIn(b, completed)
    decreases |b|
  {
    if b != [] {
      assert (a + b)[..|a + b| - 1] == a + b[..|b| - 1];
      CompletedInAppend(a, b[..|b| - 1], completed);
    } else {
      assert a + b == a;
    }
  }

  lemma {:induction false} CompletedInBounds(lectures: seq<Lecture>, completed: set<string>)
    ensures CompletedIn(lectures, completed) <= |lectures|
    ensures (forall i :: 0 <= i < |lectures| ==> lectures[i].slug in completed) ==> CompletedIn(lectures, completed) == |lectures|
    ensures (forall i :: 0 <= i < |lectures| ==> lectures[i].slug !in completed) ==> CompletedIn(lectures, completed) == 0
  {
    if lectures != [] {
      CompletedInBounds(lectures[..|lectures| - 1], completed);
    }
  }

  /** totalLectures is the number of lectures of the course. */
  lemma {:induction false} TotalIsLectureCount(modules: seq<Module>)
    ensures TotalLectures(modules) == |AllLectures(modules)|
  {
    if modules != [] {
      TotalIsLectureCount(modules[..|modules| - 1]);
    }
  }

  /** completedCount counts, over all lectures of the course, those whose slug is in the set. */
  lemma {:induction false} CompletedIsFilteredCount(modules: seq<Module>, completed: set<string>)
    ensures CompletedCount(modules, completed) == CompletedIn(AllLectures(modules), completed)
  {
    if modules != [] {
      var init := modules[..|modules| - 1];
      CompletedIsFilteredCount(init, completed);
      CompletedInAppend(AllLectures(init), modules[|modules| - 1].lectures, completed);
    }
  }

  /**
   * completedCount never exceeds totalLectures, equals it when every lecture
   * is completed and is 0 when none is.
   */
  lemma CompletedCountBounds(modules: seq<Module>, completed: set<string>)
    ensures CompletedCount(modules, completed) <= TotalLectures(modules)
    ensures (forall l :: l in AllLectures(modules) ==> l.slug in completed) ==>
      CompletedCount(modules, completed) == TotalLectures(modules)
    ensures (forall l :: l in AllLectures(modules) ==> l.slug !in completed) ==>
      CompletedCount(modules, completed) == 0
  {
    TotalIsLectureCount(modules);
    CompletedIsFilteredCount(modules, completed);
    CompletedInBounds(AllLectures(modules), completed);
  }

  lemma {:induction false} CompletedInRestrict(lectures: seq<Lecture>, completed: set<string>, slugs: set<string>)
    requires forall i :: 0 <= i < |lectures| ==> lectures[i].slug in slugs
    ensures CompletedIn(lectures, completed) == CompletedIn(lectures, completed * slugs)
  {
    if lectures != [] {
      CompletedInRestrict(lectures[..|lectures| - 1], completed, slugs);
    }
  }

  /** Completed slugs that name no lecture of the course make no difference. */
  lemma ForeignSlugsIgnored(modules: seq<Module>, completed: set<string>)
    ensures CompletedCount(modules, completed) == CompletedCount(modules, completed * CourseSlugs(modules))
  {
    CompletedIsFilteredCount(modules, completed);
    CompletedIsFilteredCount(modules, completed * CourseSlugs(modules));
    var all := AllLectures(modules);
    forall i | 0 <= i < |all| ensures all[i].slug in CourseSlugs(modules) {
      assert all[i] in all;
    }
    CompletedInRestrict(all, completed, CourseSlugs(modules));
  }

  /**
   * `Math.round(part / whole * 100)`, exactly: the nearest whole percentage,
   * halves rounded up (see `RoundPercentCharacterised`).
   */
  function RoundPercent(part: nat, whole: nat): (r: nat)
    requires whole > 0
    ensures part <= whole ==> r <= 100
    ensures part == whole ==> r == 100
    ensures part == 0 ==> r == 0
  {
    var r := (200 * part + whole) / (2 * whole);
    RoundPercentRange(part, whole);
    r
  }

  lemma MulMonotone(d: nat, a: nat, b: nat)
    requires a <= b
    ensures d * a <= d * b
  {
  }

  /** A quotient is the one q with d*q <= n < d*q + d. */
  lemma QuotientUnique(n: nat, d: nat, q: nat)
    requires d > 0 && d * q <= n < d * q + d
    ensures n / d == q
  {
    var r := n / d;
    assert d * r <= n < d * r + d;
    if r < q {
      MulMonotone(d, r + 1, q);
    } else if r > q {
      MulMonotone(d, q + 1, r);
    }
  }

  /**
   * The result is the percentage rounded half up: 100·part/whole lies in
   * [r - 1/2, r + 1/2).
   */
  lemma RoundPercentNearest(part: nat, whole: nat)
    requires whole > 0
    ensures var r := (200 * part + whole) / (2 * whole);
      2 * whole * r <= 200 * part + whole < 2 * whole * r + 2 * whole
  {
  }

  /**
   * What `Math.round` means here: the result is exactly the q for which
   * 100·part/whole lies in [q - 1/2, q + 1/2).
   */
  lemma RoundPercentCharacterised(part: nat, whole: nat, q: nat)
    requires whole > 0
    ensures RoundPercent(part, whole) == q <==>
      2 * whole * q <= 200 * part + whole < 2 * whole * q + 2 * whole
  {
    RoundPercentNearest(part, whole);
    if 2 * whole * q <= 200 * part + whole < 2 * whole * q + 2 * whole {
      QuotientUnique(200 * part + whole, 2 * whole, q);
    }
  }

  lemma RoundPercentRange(part: nat, whole: nat)
    requires whole > 0
    ensures var r := (200 * part + whole) / (2 * whole);
      && (part <= whole ==> r <= 100)
      && (part == whole ==> r == 100)
      && (part == 0 ==> r == 0)
  {
    var n, d := 200 * part + whole, 2 * whole;
    var r := n / d;
    RoundPercentNearest(part, whole);
    if part <= whole && r > 100 {
      MulMonotone(200, part, whole);
      MulMonotone(d, 101, r);
    }
    if part == whole {
      QuotientUnique(n, d, 100);
    }
    if part == 0 {
      QuotientUnique(n, d, 0);
    }
  }

  /** `progressPercentage`: 0 for a course without lectures, otherwise the rounded share completed. */
  function ProgressPercentage(modules: seq<Module>, completed: set<string>): (r: nat)
    ensures r <= 100
    ensures TotalLectures(modules) == 0 ==> r == 0
    ensures TotalLectures(modules) > 0 ==> r == RoundPercent(CompletedCount(modules, completed), TotalLectures(modules))
  {
    CompletedCountBounds(modules, completed);
    var total := TotalLectures(modules);
    if total > 0 then RoundPercent(CompletedCount(modules, completed), total) else 0
  }

  /** Every lecture completed gives 100; none completed gives 0. */
  lemma ProgressExtremes(modules: seq<Module>, completed: set<string>)
    ensures (forall l :: l in AllLectures(modules) ==> l.slug in completed) && TotalLectures(modules) > 0 ==>
      ProgressPercentage(modules, completed) == 100
    ensures (forall l :: l in AllLectures(modules) ==> l.slug !in completed) ==>
      ProgressPercentage(modules, completed) == 0
  {
    CompletedCountBounds(modules, completed);
  }

  /** `moduleProgress`: the same rule for one module; 0 for an empty module. */
  function ModuleProgress(m: Module, completed: set<string>): (r: nat)
    ensures r <= 100
    ensures m.lectures == [] ==> r == 0
    ensures (forall i :: 0 <= i < |m.lectures| ==> m.lectures[i].slug in completed) && m.lectures != [] ==> r == 100
    ensures (forall i :: 0 <= i < |m.lectures| ==> m.lectures[i].slug !in completed) ==> r == 0
  {
    CompletedInBounds(m.lectures, completed);
    var moduleCompletedCount := CompletedIn(m.lectures, completed);
    if |m.lectures| > 0 then RoundPercent(moduleCompletedCount, |m.lectures|) else 0
  }

  /** The module figure agrees with the course figure for a single-module course. */
  lemma ModuleProgressOfSingleModule(m: Module, completed: set<string>)
    ensures ModuleProgress(m, completed) == ProgressPercentage([m], completed)
  {
    assert [m][..0] == [];
    assert TotalLectures([m]) == |m.lectures|;
    assert CompletedCount([m], completed) == CompletedIn(m.lectures, completed);
  }

  /** `isActive` */
  predicate IsActive(lecture: Lecture, currentLectureSlug: string) {
    lecture.slug == currentLectureSlug
  }

  /** When lecture slugs are distinct, at most one lecture of a module is marked active. */
  lemma AtMostOneActive(lectures: seq<Lecture>, currentLectureSlug: string, i: nat, j: nat)
    requires forall p, q :: 0 <= p < q < |lectures| ==> lectures[p].slug != lectures[q].slug
    requires i < |lectures| && j < |lectures|
    requires IsActive(lectures[i], currentLectureSlug) && IsActive(lectures[j], currentLectureSlug)
    ensures i == j
  {
  }

  /**
   * `formatDuration`: "H:MM" (minutes padded to two digits) from an hour on,
   * "M:00" below; the seconds are never shown.
   */
  function FormatDuration(seconds: nat): (r: string)
    ensures Hours(seconds) > 0 ==>
      r == NatToString(Hours(seconds)) + ":" + ((if Minutes(seconds) < 10 then "0" else "") + NatToString(Minutes(seconds)))
    ensures Hours(seconds) == 0 ==> r == NatToString(Minutes(seconds)) + ":00"
  {
    var hours := Hours(seconds);
    var minutes := Minutes(seconds);
    TwoDigitMinutes(minutes);
    if hours > 0 then NatToString(hours) + ":" + PadStart(NatToString(minutes), 2, '0')
    else NatToString(minutes) + ":00"
  }

  /** `padStart(2, "0")` adds one "0" exactly to a single digit. */
  lemma TwoDigitMinutes(m: nat)
    ensures PadStart(NatToString(m), 2, '0') == (if m < 10 then "0" else "") + NatToString(m)
  {
  }

  /** Removing the seconds past the last whole minute keeps the hours and the minutes. */
  lemma WholeMinuteParts(seconds: nat)
    ensures Hours(seconds - seconds % 60) == Hours(seconds)
    ensures Minutes(seconds - seconds % 60) == Minutes(seconds)
  {
    var k := seconds / 60;
    var t := seconds - seconds % 60;
    assert t == k * 60;
    assert t / 60 == k;
    SameMinutesIff(t, seconds);
  }

  /** Dropping the seconds past the last whole minute does not change the label. */
  lemma FormatDurationIgnoresSeconds(seconds: nat)
    ensures FormatDuration(seconds) == FormatDuration(seconds - seconds % 60)
  {
    WholeMinuteParts(seconds);
  }

  /** 125 s is "2:00" and 3725 s is "1:02". */
  lemma FormatDurationExamples()
    ensures FormatDuration(125) == "2:00"
    ensures FormatDuration(3725) == "1:02"
  {
    assert Hours(125) == 0 && Minutes(125) == 2;
    assert Hours(3725) == 1 && Minutes(3725) == 2;
    assert NatToString(2) == "2";
    assert NatToString(1) == "1";
  }

  /** Two minutes and two hours get the same label. */
  lemma FormatDurationAmbiguous()
    ensures FormatDuration(120) == FormatDuration(7200) == "2:00"
  {
    assert Hours(120) == 0 && Minutes(120) == 2;
    assert Hours(7200) == 2 && Minutes(7200) == 0;
    var two, zero := NatToString(2), NatToString(0);
    assert two == "2" && zero == "0";
    assert FormatDuration(120) == two + ":00";
    assert FormatDuration(7200) == two + ":" + ("0" + zero);
  }

  /** The completed-lectures answer. */
  datatype ClassesOutcome =
    | ClassesReceived(classesCompleted: Option<seq<string>>)  // None: no body, or not an array
    | ClassesFailed(error: Thrown)

  function SlugSet(slugs: seq<string>): (r: set<string>)
    ensures forall s :: s in r <==> s in slugs
  {
    set s | s in slugs
  }

  /** The sidebar's own state. */
  class Sidebar {
    var completedLectures: set<string>
    var loading: bool

    constructor()
      ensures completedLectures == {} && loading
    {
      completedLectures := {};
      loading := true;
    }

    /**
     * `fetchCompletedLectures`: no request without a server address, a
     * login or a token; the set is replaced only by a received array of
     * slugs; a failure keeps it; loading always ends.
     */
    method FetchCompletedLectures(strapiSet: bool, isLoggedIn: bool, token: string, outcome: ClassesOutcome)
      returns (requested: bool)
      modifies this
      ensures requested == (strapiSet && isLoggedIn && token != "")
      ensures !loading
      ensures completedLectures ==
        if requested && outcome.ClassesReceived? && outcome.classesCompleted.Some?
        then SlugSet(outcome.classesCompleted.value)
        else old(completedLectures)
    {
      if !strapiSet || !isLoggedIn || token == "" {
        loading := false;
        return false;
      }
      requested := true;
      match outcome {
        case ClassesReceived(classesCompleted) =>
          if classesCompleted.Some? {
            completedLectures := SlugSet(classesCompleted.value);
          }
        case ClassesFailed(_) =>
      }
      loading := false;
    }
  }
}
