/** `formatSeconds`: a duration in seconds as "45s", "1m", "1h", "1h 1m". */
module Duration {
  import opened Text

  /**
   * Under a minute the seconds are shown with an "s"; from a minute on, the
   * whole hours ("h") and the whole minutes left over ("m"), the minutes
   * omitted when hours are shown and the minutes are zero, and the leftover
   * seconds dropped. The source builds the string by two conditional appends
   * and trims it.
   */
  function FormatSeconds(seconds: nat): (r: string)
    ensures seconds >= 60 ==> r == DisplayText(Hours(seconds), Minutes(seconds))
  {
    if seconds < 60 then NatToString(seconds) + "s"
    else
      TrimAppended(Hours(seconds), Minutes(seconds));
      Trim(Appended(Hours(seconds), Minutes(seconds)))
  }

  /**
   * The string of the two conditional appends, before the trim: never empty,
   * and ending in a space only for whole hours with no minutes.
   */
  function Appended(hours: nat, minutes: nat): (r: string)
    ensures r != [] && (r[|r| - 1] == ' ' <==> hours > 0 && minutes == 0)
  {
    (if hours > 0 then NatToString(hours) + "h " else "")
    + (if minutes > 0 || hours == 0 then NatToString(minutes) + "m" else "")
  }

  /** The whole hours of a duration, as the source computes them. */
  function Hours(seconds: nat): (h: nat)
    ensures h * 3600 <= seconds < h * 3600 + 3600
  {
    seconds / 3600
  }

  /** The whole minutes left over after the hours. */
  function Minutes(seconds: nat): (m: nat)
    ensures m < 60 && m * 60 <= seconds % 3600 < m * 60 + 60
  {
    (seconds % 3600) / 60
  }

  /** The decomposition: minutes below 60, and only a part of a minute left over. */
  lemma Decomposition(seconds: nat)
    ensures Minutes(seconds) < 60
    ensures Hours(seconds) * 3600 + Minutes(seconds) * 60 <= seconds
    ensures seconds < Hours(seconds) * 3600 + (Minutes(seconds) + 1) * 60
    ensures Hours(seconds) * 60 + Minutes(seconds) == seconds / 60
  {
    var h, r := seconds / 3600, seconds % 3600;
    var m, q := r / 60, r % 60;
    assert seconds == h * 3600 + r;
    assert r == m * 60 + q;
    assert seconds == (h * 60 + m) * 60 + q;
  }

  /** Under a minute: the number of seconds followed by "s". */
  lemma {:induction false} FormatSecondsUnderMinute(seconds: nat)
    requires seconds < 60
    ensures FormatSeconds(seconds) == NatToString(seconds) + "s"
  {
  }

  /**
   * The text shown for a duration of a minute or more, from its whole hours
   * and leftover whole minutes.
   */
  function DisplayText(h: nat, m: nat): string {
    if h == 0 then NatToString(m) + "m"
    else if m == 0 then NatToString(h) + "h"
    else NatToString(h) + ("h " + NatToString(m) + "m")
  }

  /** Trimming the appended string gives the displayed text. */
  lemma TrimAppended(h: nat, m: nat)
    ensures Trim(Appended(h, m)) == DisplayText(h, m)
  {
    var hs, ms := NatToString(h), NatToString(m);
    if h == 0 {
      var s := ms + "m";
      assert Appended(h, m) == s;
      TrimUnchanged(s);
    } else if m == 0 {
      var s := hs + "h";
      assert Appended(h, m) == s + [' '];
      TrimDropsTrailingSpace(s, ' ');
    } else {
      var s := hs + ("h " + ms + "m");
      assert Appended(h, m) == s;
      assert s[0] == hs[0];
      TrimUnchanged(s);
    }
  }

  /**
   * From a minute on, the exact form of the result: "<m>m" below an hour
   * (with at least one minute), "<h>h" for a whole number of hours and
   * "<h>h <m>m" otherwise; the trailing space of the exact-hours case is gone.
   */
  lemma FormatSecondsShape(seconds: nat)
    requires seconds >= 60
    ensures FormatSeconds(seconds) == DisplayText(Hours(seconds), Minutes(seconds))
    ensures Hours(seconds) == 0 ==> Minutes(seconds) >= 1
  {
    TrimAppended(Hours(seconds), Minutes(seconds));
  }

  /** The result is never empty and has no space at either end. */
  lemma FormatSecondsTrimmed(seconds: nat)
    ensures var r := FormatSeconds(seconds);
      r != [] && !IsWhitespace(r[0]) && !IsWhitespace(r[|r| - 1])
  {
    if seconds >= 60 {
      FormatSecondsShape(seconds);
      var h, m := Hours(seconds), Minutes(seconds);
      if h != 0 {
        var hs := NatToString(h);
        assert FormatSeconds(seconds)[0] == hs[0];
      }
    }
  }

  /** Below an hour: exactly the whole minutes followed by "m". */
  lemma FormatSecondsMinutes(seconds: nat)
    requires 60 <= seconds < 3600
    ensures FormatSeconds(seconds) == NatToString(seconds / 60) + "m"
    ensures seconds / 60 >= 1
  {
    FormatSecondsShape(seconds);
    Decomposition(seconds);
  }

  /** The usage examples of the doc comment, and the boundary cases. */
  lemma FormatSecondsExamplesUnderMinute()
    ensures FormatSeconds(45) == "45s"
    ensures FormatSeconds(0) == "0s"
  {
    assert NatToString(4) == "4";
    assert NatToString(45) == "45";
    assert NatToString(0) == "0";
  }

  lemma FormatSecondsExampleMinute()
    ensures FormatSeconds(75) == "1m"
  {
    assert NatToString(1) == "1";
    FormatSecondsShape(75);
  }

  lemma FormatSecondsExampleHours()
    ensures FormatSeconds(3675) == "1h 1m"
    ensures FormatSeconds(3600) == "1h"
  {
    assert NatToString(1) == "1";
    FormatSecondsShape(3675);
    FormatSecondsShape(3600);
  }

  /**
   * What the display keeps: two durations of a minute or more show the same
   * text exactly when they have the same number of whole minutes, and two
   * durations under a minute exactly when they are equal; a duration under a
   * minute never shows like one of a minute or more.
   */
  lemma FormatSecondsDeterminesMinutes(a: nat, b: nat)
    ensures a >= 60 && b >= 60 ==> (FormatSeconds(a) == FormatSeconds(b) <==> a / 60 == b / 60)
    ensures a < 60 && b < 60 ==> (FormatSeconds(a) == FormatSeconds(b) <==> a == b)
    ensures a < 60 <= b ==> FormatSeconds(a) != FormatSeconds(b)
  {
    if a >= 60 && b >= 60 {
      LongDurationsSameText(a, b);
    } else if a < 60 && b < 60 {
      ShortDurationsSameText(a, b);
    } else if a < 60 <= b {
      ShortNeverLong(a, b);
    }
  }

  lemma LongDurationsSameText(a: nat, b: nat)
    requires a >= 60 && b >= 60
    ensures FormatSeconds(a) == FormatSeconds(b) <==> a / 60 == b / 60
  {
    FormatSecondsShape(a);
    FormatSecondsShape(b);
    var ha, ma, hb, mb := Hours(a), Minutes(a), Hours(b), Minutes(b);
    SameMinutesIff(a, b);
    if FormatSeconds(a) == FormatSeconds(b) {
      assert DisplayText(ha, ma) == DisplayText(hb, mb);
      DisplayTextInjective(ha, ma, hb, mb);
    }
  }

  lemma ShortDurationsSameText(a: nat, b: nat)
    requires a < 60 && b < 60
    ensures FormatSeconds(a) == FormatSeconds(b) <==> a == b
  {
    if FormatSeconds(a) == FormatSeconds(b) {
      SplitDigits(NatToString(a), NatToString(b), "s", "s");
      NatToStringInjective(a, b);
    }
  }

  lemma ShortNeverLong(a: nat, b: nat)
    requires a < 60 <= b
    ensures FormatSeconds(a) != FormatSeconds(b)
  {
    FormatSecondsShape(b);
    DisplayTextKind(Hours(b), Minutes(b));
    var r := FormatSeconds(b);
    assert r[|r| - 1] != 's';
  }

  /** Two durations have the same hours and minutes exactly when they have the same whole minutes. */
  lemma SameMinutesIff(a: nat, b: nat)
    ensures Hours(a) == Hours(b) && Minutes(a) == Minutes(b) <==> a / 60 == b / 60
  {
    Decomposition(a);
    Decomposition(b);
  }

  /** The three forms are told apart by their last character and by holding a space. */
  lemma DisplayTextKind(h: nat, m: nat)
    ensures var t := DisplayText(h, m);
      |t| >= 2 && (t[|t| - 1] == 'h' <==> h != 0 && m == 0) && ((' ' in t) <==> h != 0 && m != 0)
  {
    var t := DisplayText(h, m);
    var hs, ms := NatToString(h), NatToString(m);
    if h != 0 && m != 0 {
      assert t == hs + ("h " + ms + "m");
      assert t[|hs| + 1] == ' ';
    } else if h != 0 {
      assert t == hs + "h";
      assert forall i :: 0 <= i < |t| ==> t[i] != ' ';
    } else {
      assert t == ms + "m";
      assert forall i :: 0 <= i < |t| ==> t[i] != ' ';
    }
  }

  lemma DisplayTextInjective(h1: nat, m1: nat, h2: nat, m2: nat)
    requires h1 == 0 ==> m1 > 0
    requires h2 == 0 ==> m2 > 0
    requires DisplayText(h1, m1) == DisplayText(h2, m2)
    ensures h1 == h2 && m1 == m2
  {
    DisplayTextKind(h1, m1);
    DisplayTextKind(h2, m2);
    var hs1, ms1, hs2, ms2 := NatToString(h1), NatToString(m1), NatToString(h2), NatToString(m2);
    if h1 == 0 {
      SplitDigits(ms1, ms2, "m", "m");
      NatToStringInjective(m1, m2);
    } else if m1 == 0 {
      SplitDigits(hs1, hs2, "h", "h");
      NatToStringInjective(h1, h2);
    } else {
      SplitDigits(hs1, hs2, "h " + ms1 + "m", "h " + ms2 + "m");
      NatToStringInjective(h1, h2);
      assert ("h " + ms1 + "m")[2..] == ms1 + "m";
      assert ("h " + ms2 + "m")[2..] == ms2 + "m";
      SplitDigits(ms1, ms2, "m", "m");
      NatToStringInjective(m1, m2);
    }
  }

  /** A run of digits followed by a non-digit is read off unambiguously. */
  lemma SplitDigits(x: string, y: string, u: string, v: string)
    requires AllDigits(x) && AllDigits(y)
    requires u != [] && v != [] && !IsDigit(u[0]) && !IsDigit(v[0])
    requires x + u == y + v
    ensures x == y && u == v
  {
    DigitRunLength(x, u);
    DigitRunLength(y, v);
    assert x == (x + u)[..|x|];
    assert y == (y + v)[..|y|];
    assert u == (x + u)[|x|..];
    assert v == (y + v)[|y|..];
  }
}
