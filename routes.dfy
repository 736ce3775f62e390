/** The site paths the modelled code builds: course pages and lecture pages. */
module Routes {

  const LOGIN_REGISTER := "/login-register"
  const PROFILE := "/profile"

  /** "/courses/{slug}" */
  function CoursePath(courseSlug: string): string {
    "/courses/" + courseSlug
  }

  /** "/courses/{courseSlug}/{lectureSlug}" */
  function LecturePath(courseSlug: string, lectureSlug: string): string {
    "/courses/" + courseSlug + "/" + lectureSlug
  }

  predicate NoSlash(s: string) {
    forall i :: 0 <= i < |s| ==> s[i] != '/'
  }

  /**
   * With course slugs free of "/", a lecture path names its course and its
   * lecture, and no lecture path is also a course page.
   */
  lemma LecturePathInjective(c1: string, l1: string, c2: string, l2: string)
    requires NoSlash(c1) && NoSlash(c2)
    requires LecturePath(c1, l1) == LecturePath(c2, l2)
    ensures c1 == c2 && l1 == l2
  {
    var p := LecturePath(c1, l1);
    var q := LecturePath(c2, l2);
    assert p[9..] == c1 + "/" + l1;
    assert q[9..] == c2 + "/" + l2;
    SlashSplit(c1, l1, c2, l2);
  }

  lemma CoursePathNotLecturePath(c1: string, c2: string, l: string)
    requires NoSlash(c1)
    ensures CoursePath(c1) != LecturePath(c2, l)
  {
    var p, q := CoursePath(c1), LecturePath(c2, l);
    assert p[9..] == c1;
    assert q[9..][|c2|] == '/';
  }

  lemma SlashSplit(a: string, x: string, b: string, y: string)
    requires NoSlash(a) && NoSlash(b)
    requires a + "/" + x == b + "/" + y
    ensures a == b && x == y
  {
    var s := a + "/" + x;
    var t := b + "/" + y;
    assert FirstSlash(s) == |a| by { FirstSlashAfter(a, x); }
    assert FirstSlash(t) == |b| by { FirstSlashAfter(b, y); }
    assert a == s[..|a|];
    assert b == t[..|b|];
    assert x == s[|a| + 1..];
    assert y == t[|b| + 1..];
  }

  /** The index of the first "/" in `s`, or its length. */
  function FirstSlash(s: string): (n: nat)
    ensures n <= |s|
  {
    if s == [] || s[0] == '/' then 0 else 1 + FirstSlash(s[1..])
  }

  lemma {:induction false} FirstSlashAfter(a: string, x: string)
    requires NoSlash(a)
    ensures FirstSlash(a + "/" + x) == |a|
  {
    if a != [] {
      assert (a + "/" + x)[1..] == a[1..] + "/" + x;
      FirstSlashAfter(a[1..], x);
    }
  }
}
