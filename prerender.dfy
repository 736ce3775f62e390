/**
 * Build-time prerendering: the static routes followed by one page per
 * course and one per lecture, read from the CMS's course-slugs endpoint.
 */
module Prerender {
  import opened Wrappers
  import opened Routes

  /** The slice of the `courses-slugs` answer the routes are built from. */
  datatype ModuleSlugs = ModuleSlugs(lectures: seq<string>)
  datatype CourseSlugs = CourseSlugs(slug: string, modules: seq<ModuleSlugs>)

  /** The fetch: a non-ok status, a received list, or a throw before the loop. */
  datatype SlugsResponse = NotOk | Received(courses: seq<CourseSlugs>) | Threw

  /** The lecture pages of one module, in order. */
  function LecturePaths(courseSlug: string, lectures: seq<string>): (r: seq<string>)
    ensures |r| == |lectures|
    ensures forall i :: 0 <= i < |lectures| ==> r[i] == LecturePath(courseSlug, lectures[i])
  {
    if lectures == [] then []
    else LecturePaths(courseSlug, lectures[..|lectures| - 1]) + [LecturePath(courseSlug, lectures[|lectures| - 1])]
  }

  /** The lecture pages of a course, module by module. */
  function ModulePaths(courseSlug: string, modules: seq<ModuleSlugs>): seq<string> {
    if modules == [] then []
    else ModulePaths(courseSlug, modules[..|modules| - 1]) + LecturePaths(courseSlug, modules[|modules| - 1].lectures)
  }

  /** A course's page followed by its lectures' pages. */
  function CoursePaths(c: CourseSlugs): seq<string> {
    [CoursePath(c.slug)] + ModulePaths(c.slug, c.modules)
  }

  /** The dynamic routes: each course's pages, course by course. */
  function DynamicPaths(courses: seq<CourseSlugs>): seq<string> {
    if courses == [] then []
    else DynamicPaths(courses[..|courses| - 1]) + CoursePaths(courses[|courses| - 1])
  }

  /** Whether `strapiUrl` is set (an empty value counts as unset). */
  predicate UrlSet(strapiUrl: Option<string>) {
    strapiUrl.Some? && strapiUrl.value != ""
  }

  /**
   * `prerender`: without a server URL, on a non-ok answer or on a throw,
   * only the static paths; otherwise the static paths then the dynamic ones.
   */
  method Prerender(staticPaths: seq<string>, strapiUrl: Option<string>, response: SlugsResponse)
    returns (paths: seq<string>)
    ensures paths == staticPaths + (if UrlSet(strapiUrl) && response.Received? then DynamicPaths(response.courses) else [])
  {
    var dynamicPaths: seq<string> := [];
    if !UrlSet(strapiUrl) {
      return staticPaths;
    }
    if response.Received? {
      var courses := response.courses;
      var i := 0;
      while i < |courses|
        invariant 0 <= i <= |courses|
        invariant dynamicPaths == DynamicPaths(courses[..i])
      {
        dynamicPaths := AppendCoursePaths(dynamicPaths, courses[i]);
        i := i + 1;
        assert courses[..i][..i - 1] == courses[..i - 1];
      }
      assert courses[..i] == courses;
    }
    return staticPaths + dynamicPaths;
  }

  /** The body of the loop over courses: the course's page, then its modules' lecture pages. */
  method AppendCoursePaths(acc: seq<string>, course: CourseSlugs) returns (r: seq<string>)
    ensures r == acc + CoursePaths(course)
  {
    r := acc + [CoursePath(course.slug)];
    var j := 0;
    while j < |course.modules|
      invariant 0 <= j <= |course.modules|
      invariant r == acc + ([CoursePath(course.slug)] + ModulePaths(course.slug, course.modules[..j]))
    {
      r := AppendLecturePaths(r, course.slug, course.modules[j].lectures);
      j := j + 1;
      assert course.modules[..j][..j - 1] == course.modules[..j - 1];
    }
    assert course.modules[..j] == course.modules;
  }

  /** The body of the loop over a module: one page per lecture, in order. */
  method AppendLecturePaths(acc: seq<string>, courseSlug: string, lectures: seq<string>) returns (r: seq<string>)
    ensures r == acc + LecturePaths(courseSlug, lectures)
  {
    r := acc;
    var k := 0;
    while k < |lectures|
      invariant 0 <= k <= |lectures|
      invariant r == acc + LecturePaths(courseSlug, lectures[..k])
    {
      r := r + [LecturePath(courseSlug, lectures[k])];
      k := k + 1;
      assert lectures[..k][..k - 1] == lectures[..k - 1];
    }
    assert lectures[..k] == lectures;
  }

  /** Σ over modules of the lecture count. */
  function LectureCount(modules: seq<ModuleSlugs>): nat {
    if modules == [] then 0 else LectureCount(modules[..|modules| - 1]) + |modules[|modules| - 1].lectures|
  }

  /** Σ over courses of 1 + its lecture count. */
  function PageCount(courses: seq<CourseSlugs>): nat {
    if courses == [] then 0 else PageCount(courses[..|courses| - 1]) + 1 + LectureCount(courses[|courses| - 1].modules)
  }

  lemma {:induction false} ModulePathsCount(courseSlug: string, modules: seq<ModuleSlugs>)
    ensures |ModulePaths(courseSlug, modules)| == LectureCount(modules)
  {
    if modules != [] {
      ModulePathsCount(courseSlug, modules[..|modules| - 1]);
    }
  }

  /** One path per course and one per lecture: nothing merged, nothing dropped. */
  lemma {:induction false} DynamicPathsCount(courses: seq<CourseSlugs>)
    ensures |DynamicPaths(courses)| == PageCount(courses)
  {
    if courses != [] {
      DynamicPathsCount(courses[..|courses| - 1]);
      ModulePathsCount(courses[|courses| - 1].slug, courses[|courses| - 1].modules);
    }
  }

  /** Whether `p` is the page of lecture `l` in some module. */
  ghost predicate IsLecturePageOf(p: string, courseSlug: string, modules: seq<ModuleSlugs>) {
    exists m, l :: m in modules && l in m.lectures && p == LecturePath(courseSlug, l)
  }

  lemma {:induction false} ModulePathsMembers(courseSlug: string, modules: seq<ModuleSlugs>, p: string)
    ensures p in ModulePaths(courseSlug, modules) <==> IsLecturePageOf(p, courseSlug, modules)
  {
    if modules != [] {
      var init, last := modules[..|modules| - 1], modules[|modules| - 1];
      ModulePathsMembers(courseSlug, init, p);
      var lp := LecturePaths(courseSlug, last.lectures);
      if p in lp {
        var i :| 0 <= i < |lp| && lp[i] == p;
        assert last.lectures[i] in last.lectures;
      }
      if IsLecturePageOf(p, courseSlug, modules) {
        var m, l :| m in modules && l in m.lectures && p == LecturePath(courseSlug, l);
        if m == last {
          var i :| 0 <= i < |last.lectures| && last.lectures[i] == l;
          assert lp[i] == p;
        } else {
          assert m in init;
        }
      }
    }
  }

  /** Every dynamic path is the page of a listed course or of one of its lectures, and every such page is there. */
  lemma {:induction false} DynamicPathsMembers(courses: seq<CourseSlugs>, p: string)
    ensures p in DynamicPaths(courses) <==>
      exists c :: c in courses && (p == CoursePath(c.slug) || IsLecturePageOf(p, c.slug, c.modules))
  {
    if courses != [] {
      var init, last := courses[..|courses| - 1], courses[|courses| - 1];
      DynamicPathsMembers(init, p);
      ModulePathsMembers(last.slug, last.modules, p);
      if exists c :: c in courses && (p == CoursePath(c.slug) || IsLecturePageOf(p, c.slug, c.modules)) {
        var c :| c in courses && (p == CoursePath(c.slug) || IsLecturePageOf(p, c.slug, c.modules));
        if c != last {
          assert c in init;
        }
      }
    }
  }

  /** A course listed twice yields its pages twice. */
  lemma RepeatedCourseRepeatsPages(c: CourseSlugs)
    ensures DynamicPaths([c, c]) == CoursePaths(c) + CoursePaths(c)
  {
    assert [c, c][..1] == [c];
    assert [c][..0] == [];
    assert DynamicPaths([c]) == DynamicPaths([]) + CoursePaths(c);
  }
}
